/** The task entity (models/TaskModel.java). */
module Models {
  import opened Wrappers

  /** The seven fields of a task at one moment; `None` is a null string. */
  datatype TaskRecord = TaskRecord(
    taskId: string,
    taskTitle: Option<string>,
    taskDescription: Option<string>,
    taskCreatedOn: string,
    taskLastUpdatedOn: string,
    taskCompleted: bool,
    taskDeleted: bool)

  /** A mutable task. The type keeps no invariant: any title and any flag
      combination can be stored. */
  class TaskModel {
    var taskId: string
    var taskTitle: Option<string>
    var taskDescription: Option<string>
    var taskCreatedOn: string
    var taskLastUpdatedOn: string
    var taskCompleted: bool
    var taskDeleted: bool

    /** The current value of all seven fields. */
    function Record(): TaskRecord
      reads this
    {
      TaskRecord(taskId, taskTitle, taskDescription, taskCreatedOn, taskLastUpdatedOn,
        taskCompleted, taskDeleted)
    }

    constructor (taskId: string, taskTitle: Option<string>, taskDescription: Option<string>,
                 taskCreatedOn: string, taskLastUpdatedOn: string,
                 taskCompleted: bool, taskDeleted: bool)
      ensures Record() == TaskRecord(taskId, taskTitle, taskDescription, taskCreatedOn,
        taskLastUpdatedOn, taskCompleted, taskDeleted)
    {
      this.taskId := taskId;
      this.taskTitle := taskTitle;
      this.taskDescription := taskDescription;
      this.taskCreatedOn := taskCreatedOn;
      this.taskLastUpdatedOn := taskLastUpdatedOn;
      this.taskCompleted := taskCompleted;
      this.taskDeleted := taskDeleted;
    }

    method SetTaskId(v: string)
      modifies this
      ensures Record() == old(Record()).(taskId := v)
    {
      taskId := v;
    }

    method SetTaskTitle(v: Option<string>)
      modifies this
      ensures Record() == old(Record()).(taskTitle := v)
    {
      taskTitle := v;
    }

    method SetTaskDescription(v: Option<string>)
      modifies this
      ensures Record() == old(Record()).(taskDescription := v)
    {
      taskDescription := v;
    }

    method SetTaskCreatedOn(v: string)
      modifies this
      ensures Record() == old(Record()).(taskCreatedOn := v)
    {
      taskCreatedOn := v;
    }

    method SetTaskLastUpdatedOn(v: string)
      modifies this
      ensures Record() == old(Record()).(taskLastUpdatedOn := v)
    {
      taskLastUpdatedOn := v;
    }

    method SetTaskCompleted(v: bool)
      modifies this
      ensures Record() == old(Record()).(taskCompleted := v)
    {
      taskCompleted := v;
    }

    method SetTaskDeleted(v: bool)
      modifies this
      ensures Record() == old(Record()).(taskDeleted := v)
    {
      taskDeleted := v;
    }
  }
}
