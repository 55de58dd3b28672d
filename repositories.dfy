/** The two in-memory task stores: the soft-delete store
    (src/main/java/repositories/TaskRepositoryLocalMemoryImpl.java) and the older
    plain store (tmr/src/main/java/repositories/TaskRepositoryLocalMemory.java).
    Both keep references to `TaskModel` objects in a map keyed by task id. */
module Repositories {
  import opened Errors
  import opened Models

  /** The soft-delete store: deleted records stay in the map but are hidden. */
  class TaskRepositoryLocalMemoryImpl {
    var tasks: map<string, TaskModel>

    constructor ()
      ensures tasks == map[]
    {
      tasks := map[];
    }

    /** Every record is filed under its own id. The store does not enforce this,
        but its callers keep it; it rules out one object under two keys. */
    ghost predicate Keyed()
      reads this, tasks.Values
    {
      forall k :: k in tasks ==> tasks[k].taskId == k
    }

    /** The ids `findTaskById` and `findAllTasks` can see: those of records
        that are not deleted. */
    ghost function VisibleIds(): set<string>
      reads this, tasks.Values
    {
      set k | k in tasks && !tasks[k].taskDeleted
    }

    /** The value of every stored record. */
    ghost function Snapshot(): map<string, TaskRecord>
      reads this, tasks.Values
    {
      map k | k in tasks :: tasks[k].Record()
    }

    /** `findTaskById` as intended: the stored record, or null when the id is
        absent or the record is deleted. The message it logs is not modelled. */
    function FindTaskById(taskId: string): (r: TaskModel?)
      reads this, tasks.Values
      ensures r != null <==> taskId in VisibleIds()
      ensures r != null ==> taskId in tasks && r == tasks[taskId] && !r.taskDeleted
    {
      if taskId in tasks && !tasks[taskId].taskDeleted then tasks[taskId] else null
    }

    /** `findTaskById` as written. Its debug message reads
        `"..." + existingTaskObject == null ? null : getJsonFromObject(existingTaskObject)`,
        and `+` binds tighter than `==`, so the test compares the joined string
        with null and is always false. `getJsonFromObject` therefore runs on the
        record, and on a null record its `getClass()` call throws. So an id that
        is not in the map throws; any other id gives the answer of `FindTaskById`. */
    function FindTaskByIdAsWritten(taskId: string): (r: Result<TaskModel?>)
      reads this, tasks.Values
      ensures r.Err? <==> taskId !in tasks
      ensures r.Err? ==> r.error == NullPointer(NULL_SOURCE_OBJECT)
      ensures r.Ok? ==> r.value == FindTaskById(taskId)
    {
      var existingTaskObject := if taskId in tasks then tasks[taskId] else null;
      if existingTaskObject == null then Err(NullPointer(NULL_SOURCE_OBJECT))
      else if existingTaskObject.taskDeleted then Ok(null)
      else Ok(existingTaskObject)
    }

    /** `findAllTasks`: one entry per stored record that is not deleted, in the
        map's iteration order (unspecified, so any order is allowed here). */
    method FindAllTasks() returns (r: seq<TaskModel>, ghost ids: seq<string>)
      ensures |r| == |ids|
      ensures forall i :: 0 <= i < |ids| ==> ids[i] in tasks && r[i] == tasks[ids[i]]
      ensures forall i :: 0 <= i < |r| ==> !r[i].taskDeleted
      ensures forall i, j :: 0 <= i < j < |ids| ==> ids[i] != ids[j]
      ensures forall k :: k in ids <==> k in VisibleIds()
    {
      r, ids := [], [];
      var remaining := tasks.Keys;
      while remaining != {}
        invariant remaining <= tasks.Keys
        invariant |r| == |ids|
        invariant forall i :: 0 <= i < |ids| ==> ids[i] in tasks && r[i] == tasks[ids[i]]
        invariant forall i :: 0 <= i < |r| ==> !r[i].taskDeleted
        invariant forall i, j :: 0 <= i < j < |ids| ==> ids[i] != ids[j]
        invariant forall k :: k in ids ==> k !in remaining
        invariant forall k :: k in ids <==> k in VisibleIds() && k !in remaining
        decreases remaining
      {
        var k :| k in remaining;
        if !tasks[k].taskDeleted {
          r, ids := r + [tasks[k]], ids + [k];
        }
        remaining := remaining - {k};
      }
    }

    /** `addNewTask`: files the record under its own id, replacing any entry
        there; no other entry and no record changes. */
    method AddNewTask(newTask: TaskModel)
      modifies this
      ensures tasks == old(tasks)[newTask.taskId := newTask]
      ensures FindTaskById(newTask.taskId) == (if newTask.taskDeleted then null else newTask)
      ensures old(Keyed()) ==> Keyed()
    {
      tasks := tasks[newTask.taskId := newTask];
    }

    /** `deleteTaskById`: sets the deleted flag of the record under the id and
        changes nothing else. The id stays in the map, but the record is hidden.
        An absent id makes the source throw NullPointerException. */
    method DeleteTaskById(taskId: string)
      requires taskId in tasks
      modifies tasks[taskId]
      ensures tasks == old(tasks)
      ensures tasks[taskId].Record() == old(tasks[taskId].Record()).(taskDeleted := true)
      ensures FindTaskById(taskId) == null && taskId in tasks
      ensures old(Keyed()) ==> Keyed()
      ensures old(Keyed()) ==> Snapshot() == old(Snapshot())[taskId := old(Snapshot())[taskId].(taskDeleted := true)]
      ensures old(Keyed()) ==> VisibleIds() == old(VisibleIds()) - {taskId}
    {
      tasks[taskId].SetTaskDeleted(true);
      assert old(Keyed()) ==> forall k :: k in tasks && k != taskId ==> tasks[k] != tasks[taskId];
    }

    /** `updateTaskById`: replaces the entry under the given key. */
    method UpdateTaskById(taskId: string, updatedTaskData: TaskModel)
      modifies this
      ensures tasks == old(tasks)[taskId := updatedTaskData]
      ensures old(Keyed()) && updatedTaskData.taskId == taskId ==> Keyed()
    {
      tasks := tasks[taskId := updatedTaskData];
    }
  }

  /** The older store: `findTaskById` is a plain lookup with no deleted filter. */
  class TaskRepositoryLocalMemory {
    var tasks: map<string, TaskModel>

    constructor ()
      ensures tasks == map[]
    {
      tasks := map[];
    }

    /** `findTaskById`: the stored record, deleted or not, or null for an id
        that was never added. */
    function FindTaskById(taskId: string): (r: TaskModel?)
      reads this
      ensures r != null <==> taskId in tasks
      ensures r != null ==> r == tasks[taskId]
    {
      if taskId in tasks then tasks[taskId] else null
    }

    /** `addNewTask`: files the record under its own id, replacing any entry there. */
    method AddNewTask(newTask: TaskModel)
      modifies this
      ensures tasks == old(tasks)[newTask.taskId := newTask]
      ensures FindTaskById(newTask.taskId) == newTask
      ensures forall k :: k != newTask.taskId ==> FindTaskById(k) == old(FindTaskById(k))
    {
      tasks := tasks[newTask.taskId := newTask];
    }
  }

  /** Over the same entries, the older store still finds a deleted record that
      the soft-delete store hides; on records that are not deleted they agree. */
  lemma DeletedRecordContrast(impl: TaskRepositoryLocalMemoryImpl, legacy: TaskRepositoryLocalMemory,
                              taskId: string)
    requires impl.tasks == legacy.tasks && taskId in impl.tasks
    ensures impl.tasks[taskId].taskDeleted ==> impl.FindTaskById(taskId) == null
    ensures legacy.FindTaskById(taskId) == impl.tasks[taskId]
    ensures !impl.tasks[taskId].taskDeleted ==> impl.FindTaskById(taskId) == legacy.FindTaskById(taskId)
  {
  }

  /** The lookup as written throws for an id that is not in the map, where the
      intended lookup (and the older store) answers null; on ids in the map the
      two agree. */
  lemma AbsentIdThrows(store: TaskRepositoryLocalMemoryImpl, taskId: string)
    ensures taskId !in store.tasks ==>
      store.FindTaskByIdAsWritten(taskId) == Err(NullPointer(NULL_SOURCE_OBJECT))
      && store.FindTaskById(taskId) == null
    ensures taskId in store.tasks ==> store.FindTaskByIdAsWritten(taskId) == Ok(store.FindTaskById(taskId))
  {
  }

  /** In a keyed store, each visible record is found under its own id. */
  lemma KeyedFindsOwnId(store: TaskRepositoryLocalMemoryImpl, t: TaskModel)
    requires store.Keyed() && t in store.tasks.Values && !t.taskDeleted
    ensures store.FindTaskById(t.taskId) == t
  {
    var k :| k in store.tasks && store.tasks[k] == t;
  }
}
