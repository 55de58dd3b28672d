/** The task service (tmr/src/main/java/services/TaskService.java): create, list,
    get, delete and partial update over the soft-delete store. */
module Services {
  import opened Wrappers
  import opened Errors
  import opened JavaLang
  import opened Models
  import opened Dtos
  import opened Validation
  import opened ServletUtility
  import opened Repositories

  /** The valid task id named in the tests: the textual UUID form of section 3 of RFC 4122. */
  const SAMPLE_VALID_ID := "123e4567-e89b-12d3-a456-426614174000"
  const SAMPLE_INVALID_ID := "invalid-uuid"

  /** An error, or the record the client is shown. */
  function ToResponse(r: Result<TaskRecord>): (s: Result<TaskResponse>)
    ensures s.Err? <==> r.Err?
    ensures r.Err? ==> s.error == r.error
    ensures r.Ok? ==> s.value == BuildTaskResponseObject(r.value)
  {
    if r.Ok? then Ok(BuildTaskResponseObject(r.value)) else Err(r.error)
  }

  /** `getTaskById` and the checks `deleteTaskById` makes before deleting: an
      invalid id is a bad request; a valid id with no visible record is not found. */
  function LookupOutcome(taskId: string, validId: bool, found: Option<TaskRecord>): (r: Result<TaskRecord>)
    ensures r == Err(BadRequest(INVALID_TASK_ID + taskId)) <==> !validId
    ensures r == Err(ResourceNotFound(NO_TASK_FOUND_WITH_ID + taskId)) <==> validId && found.None?
    ensures r.Ok? <==> validId && found.Some?
    ensures r.Ok? ==> r.value == found.value
  {
    if !validId then Err(BadRequest(INVALID_TASK_ID + taskId))
    else if found.None? then Err(ResourceNotFound(NO_TASK_FOUND_WITH_ID + taskId))
    else Ok(found.value)
  }

  /** The merge `updateTaskById` makes: each non-null patch field overwrites its
      field, and a resulting `completed` of true also sets `deleted`. */
  function ApplyPatch(t: TaskRecord, p: TaskPatchRequest): TaskRecord {
    var titled := if p.taskTitle.Some? then t.(taskTitle := p.taskTitle) else t;
    var described := if p.taskDescription.Some? then titled.(taskDescription := p.taskDescription) else titled;
    var completed := if p.isTaskCompleted.Some? then described.(taskCompleted := p.isTaskCompleted.value) else described;
    if completed.taskCompleted then completed.(taskDeleted := true) else completed
  }

  /** Only the fields a patch names change; the id and both timestamps never do;
      a record ends up deleted if it was, or if it ends up completed. */
  lemma PatchChangesOnlyPresentFields(t: TaskRecord, p: TaskPatchRequest)
    ensures var r := ApplyPatch(t, p);
      && r.taskId == t.taskId
      && r.taskCreatedOn == t.taskCreatedOn
      && r.taskLastUpdatedOn == t.taskLastUpdatedOn
      && r.taskTitle == (if p.taskTitle.Some? then p.taskTitle else t.taskTitle)
      && r.taskDescription == (if p.taskDescription.Some? then p.taskDescription else t.taskDescription)
      && r.taskCompleted == (if p.isTaskCompleted.Some? then p.isTaskCompleted.value else t.taskCompleted)
      && r.taskDeleted == (t.taskDeleted || r.taskCompleted)
  {
  }

  /** A patch with no field leaves a record that keeps "completed implies deleted" as it is. */
  lemma EmptyPatchChangesNothing(t: TaskRecord)
    requires t.taskCompleted ==> t.taskDeleted
    ensures ApplyPatch(t, TaskPatchRequest(None, None, None)) == t
  {
  }

  /** Applying the same patch twice is applying it once. */
  lemma PatchIdempotent(t: TaskRecord, p: TaskPatchRequest)
    ensures ApplyPatch(ApplyPatch(t, p), p) == ApplyPatch(t, p)
  {
  }

  /** A visible record stays visible after a patch exactly when it is not completed by it. */
  lemma PatchVisibility(t: TaskRecord, p: TaskPatchRequest)
    requires !t.taskDeleted
    ensures !ApplyPatch(t, p).taskDeleted <==> !ApplyPatch(t, p).taskCompleted
  {
  }

  /** The answer of `updateTaskById`: a null body first, then the id check, then
      the lookup, then the title rule; otherwise the patched record. A
      description is checked with blanks allowed, which never fails. */
  function UpdateOutcome(taskId: string, patch: Option<TaskPatchRequest>, validId: bool,
                         found: Option<TaskRecord>): (r: Result<TaskRecord>)
    ensures patch.None? ==> r == Err(BadRequest(EMPTY_REQUEST_BODY_NOT_VALID))
    ensures patch.Some? && !validId ==> r == Err(BadRequest(INVALID_TASK_ID + taskId))
    ensures patch.Some? && validId && found.None? ==> r == Err(ResourceNotFound(NO_TASK_FOUND_WITH_ID + taskId))
    ensures r == Err(InvalidRequestAttributeValue(TITLE_REQUIRED)) <==>
      patch.Some? && validId && found.Some? && patch.value.taskTitle.Some? && IsBlank(patch.value.taskTitle.value)
    ensures r.Ok? <==> patch.Some? && validId && found.Some? && !(patch.value.taskTitle.Some? && IsBlank(patch.value.taskTitle.value))
    ensures r.Ok? ==> r.value == ApplyPatch(found.value, patch.value)
  {
    if patch.None? then Err(BadRequest(EMPTY_REQUEST_BODY_NOT_VALID))
    else
      var looked := LookupOutcome(taskId, validId, found);
      if looked.Err? then Err(looked.error)
      else if patch.value.taskTitle.Some? && ValidateTaskTitle(patch.value.taskTitle, false).Err? then
        Err(ValidateTaskTitle(patch.value.taskTitle, false).error)
      else Ok(ApplyPatch(looked.value, patch.value))
  }

  /** A patch that names a title shows that title untrimmed: the validator's
      trimmed value is discarded. */
  lemma UpdateKeepsRawTitle(taskId: string, p: TaskPatchRequest, found: TaskRecord, v: string)
    requires p.taskTitle == Some(v) && !IsBlank(v)
    ensures UpdateOutcome(taskId, Some(p), true, Some(found)).Ok?
    ensures UpdateOutcome(taskId, Some(p), true, Some(found)).value.taskTitle == Some(v)
  {
  }

  /** The checks `createNewTask` makes before it generates an id: a null body,
      then the title (null or blank refused); the description is allowed to be
      null or blank. */
  function CreateCheck(request: Option<TaskPostRequest>): (r: Option<Failure>)
    ensures r == Some(BadRequest(EMPTY_REQUEST_BODY_NOT_VALID)) <==> request.None?
    ensures r == Some(InvalidRequestAttributeValue(TITLE_REQUIRED)) <==>
      request.Some? && IsNullOrBlank(request.value.taskTitle)
    ensures r.None? <==> request.Some? && !IsNullOrBlank(request.value.taskTitle)
  {
    if request.None? then Some(BadRequest(EMPTY_REQUEST_BODY_NOT_VALID))
    else
      var title := ValidateTaskTitle(request.value.taskTitle, false);
      if title.Err? then Some(title.error)
      else
        AllowedNeverFails(request.value.taskDescription);
        None
  }

  /** The record `createNewTask` files: the request's own title, a null
      description turned into "", both clock readings, neither completed nor deleted. */
  function NewTaskRecord(taskId: string, request: TaskPostRequest, createdOn: string,
                         lastUpdatedOn: string): TaskRecord {
    TaskRecord(taskId, request.taskTitle,
      if request.taskDescription.None? then Some("") else request.taskDescription,
      createdOn, lastUpdatedOn, false, false)
  }

  /** A new record is visible, never completed, has a description, and keeps
      the title as given even when it has whitespace to trim. */
  lemma NewTaskRecordDefaults(taskId: string, request: TaskPostRequest, createdOn: string, lastUpdatedOn: string)
    ensures var r := NewTaskRecord(taskId, request, createdOn, lastUpdatedOn);
      && r.taskId == taskId && !r.taskCompleted && !r.taskDeleted
      && r.taskTitle == request.taskTitle
      && r.taskDescription.Some?
      && (request.taskDescription.Some? ==> r.taskDescription == request.taskDescription)
      && r.taskCreatedOn == createdOn && r.taskLastUpdatedOn == lastUpdatedOn
  {
  }

  /** The answer of `createNewTask` given the generator's outputs and the ids
      of the visible records: the check's error, or the new record under the
      first free id. */
  function CreateResult(request: Option<TaskPostRequest>, generatedIds: seq<string>, taken: set<string>,
                        createdOn: string, lastUpdatedOn: string): (r: Result<TaskResponse>)
    requires CreateCheck(request).None? ==> HasFreeId(generatedIds, taken)
    ensures r.Err? <==> CreateCheck(request).Some?
    ensures r.Err? ==> r.error == CreateCheck(request).value
    ensures r.Ok? ==> r.value.taskId !in taken && r.value.taskId in generatedIds
    ensures r.Ok? ==> !r.value.taskCompleted && r.value.taskTitle == request.value.taskTitle
  {
    match CreateCheck(request)
    case Some(e) => Err(e)
    case None =>
      var i := FirstFreeIndex(generatedIds, taken);
      Ok(BuildTaskResponseObject(NewTaskRecord(generatedIds[i], request.value, createdOn, lastUpdatedOn)))
  }

  /** Some id of the generator's outputs is not taken. */
  predicate HasFreeId(ids: seq<string>, taken: set<string>) {
    exists j :: 0 <= j < |ids| && ids[j] !in taken
  }

  /** The first of the generator's outputs that is not taken: where the retry
      loop of `createNewTask` stops. */
  function FirstFreeIndex(ids: seq<string>, taken: set<string>): (i: nat)
    requires HasFreeId(ids, taken)
    ensures i < |ids| && ids[i] !in taken
    ensures forall j :: 0 <= j < i ==> ids[j] in taken
  {
    if ids[0] !in taken then 0
    else
      assert HasFreeId(ids[1..], taken) by {
        var j :| 0 <= j < |ids| && ids[j] !in taken;
        assert ids[1..][j - 1] == ids[j];
      }
      1 + FirstFreeIndex(ids[1..], taken)
  }

  /** `getTaskById` and the checks `deleteTaskById` makes before deleting, with
      the store's lookup as written: `probe` is what that lookup gives, an
      exception for an id that is not in the map. */
  function LookupOutcomeAsWritten(taskId: string, validId: bool, probe: Result<Option<TaskRecord>>)
    : (r: Result<TaskRecord>)
    ensures !validId ==> r == Err(BadRequest(INVALID_TASK_ID + taskId))
    ensures validId && probe.Err? ==> r == Err(probe.error)
    ensures probe.Ok? ==> r == LookupOutcome(taskId, validId, probe.value)
  {
    if !validId then Err(BadRequest(INVALID_TASK_ID + taskId))
    else if probe.Err? then Err(probe.error)
    else LookupOutcome(taskId, validId, probe.value)
  }

  /** The answer of `updateTaskById` with the store's lookup as written. */
  function UpdateOutcomeAsWritten(taskId: string, patch: Option<TaskPatchRequest>, validId: bool,
                                  probe: Result<Option<TaskRecord>>): (r: Result<TaskRecord>)
    ensures patch.None? ==> r == Err(BadRequest(EMPTY_REQUEST_BODY_NOT_VALID))
    ensures patch.Some? && validId && probe.Err? ==> r == Err(probe.error)
    ensures probe.Ok? ==> r == UpdateOutcome(taskId, patch, validId, probe.value)
  {
    if patch.None? then Err(BadRequest(EMPTY_REQUEST_BODY_NOT_VALID))
    else
      var looked := LookupOutcomeAsWritten(taskId, validId, probe);
      if looked.Err? then Err(looked.error)
      else if patch.value.taskTitle.Some? && ValidateTaskTitle(patch.value.taskTitle, false).Err? then
        Err(ValidateTaskTitle(patch.value.taskTitle, false).error)
      else Ok(ApplyPatch(looked.value, patch.value))
  }

  /** The retry loop of `createNewTask` with the store's lookup as written, over
      the generator's outputs `ids`, the ids `keys` in the map and the ids
      `visible` of its visible records. The first lookup of an id that is not in
      the map throws; a visible record asks for another id; a deleted one ends
      the loop. So the loop stops where the intended one does, and then throws
      unless that id belongs to a deleted record. */
  function ProbeAsWritten(ids: seq<string>, keys: set<string>, visible: set<string>): (r: Result<nat>)
    requires visible <= keys && HasFreeId(ids, visible)
    ensures r.Err? <==> ids[FirstFreeIndex(ids, visible)] !in keys
    ensures r.Err? ==> r.error == NullPointer(NULL_SOURCE_OBJECT)
    ensures r.Ok? ==> r.value == FirstFreeIndex(ids, visible)
  {
    if ids[0] !in keys then Err(NullPointer(NULL_SOURCE_OBJECT))
    else if ids[0] !in visible then Ok(0)
    else
      assert HasFreeId(ids[1..], visible) by {
        var j :| 0 <= j < |ids| && ids[j] !in visible;
        assert ids[1..][j - 1] == ids[j];
      }
      var rest := ProbeAsWritten(ids[1..], keys, visible);
      if rest.Err? then rest else Ok(1 + rest.value)
  }

  /** The answer of `createNewTask` with the store's lookup as written: the
      checks as before, then the loop above. A record is created only under the
      id of a deleted record; a fresh id throws. */
  function CreateResultAsWritten(request: Option<TaskPostRequest>, generatedIds: seq<string>, keys: set<string>,
                                 visible: set<string>, createdOn: string, lastUpdatedOn: string)
    : (r: Result<TaskResponse>)
    requires visible <= keys
    requires CreateCheck(request).None? ==> HasFreeId(generatedIds, visible)
    ensures CreateCheck(request).Some? ==> r == CreateResult(request, generatedIds, visible, createdOn, lastUpdatedOn)
    ensures CreateCheck(request).None? ==>
      (r.Err? <==> generatedIds[FirstFreeIndex(generatedIds, visible)] !in keys)
    ensures r.Err? && CreateCheck(request).None? ==> r.error == NullPointer(NULL_SOURCE_OBJECT)
    ensures r.Ok? ==> r == CreateResult(request, generatedIds, visible, createdOn, lastUpdatedOn)
                      && r.value.taskId in keys && r.value.taskId !in visible
  {
    match CreateCheck(request)
    case Some(e) => Err(e)
    case None =>
      var probe := ProbeAsWritten(generatedIds, keys, visible);
      if probe.Err? then Err(probe.error)
      else Ok(BuildTaskResponseObject(NewTaskRecord(generatedIds[probe.value], request.value, createdOn, lastUpdatedOn)))
  }

  /** The task service over one soft-delete store. `isValidTaskId` is the id
      check of the validation utility, whose body is not part of this model:
      only the valid and the invalid example of the tests are known about it. */
  class TaskService {
    const repository: TaskRepositoryLocalMemoryImpl
    const isValidTaskId: string -> bool

    constructor (repository: TaskRepositoryLocalMemoryImpl, isValidTaskId: string -> bool)
      requires isValidTaskId(SAMPLE_VALID_ID) && !isValidTaskId(SAMPLE_INVALID_ID)
      ensures this.repository == repository && this.isValidTaskId == isValidTaskId
      ensures repository.tasks == map[] ==> Valid()
    {
      this.repository := repository;
      this.isValidTaskId := isValidTaskId;
    }

    /** What the service keeps true of the store: each record under its own id,
        and every completed record deleted. */
    ghost predicate Valid()
      reads repository, repository.tasks.Values
    {
      && repository.Keyed()
      && forall k :: k in repository.tasks ==> repository.tasks[k].taskCompleted ==> repository.tasks[k].taskDeleted
    }

    /** The record `findTaskById` returns, as a value. */
    function Lookup(taskId: string): (r: Option<TaskRecord>)
      reads repository, repository.tasks.Values
      ensures r.Some? <==> taskId in repository.VisibleIds()
      ensures r.Some? ==> r.value == repository.tasks[taskId].Record() && !r.value.taskDeleted
    {
      var t := repository.FindTaskById(taskId);
      if t == null then None else Some(t.Record())
    }

    /** What the store's lookup as written gives: an exception for an id that is
        not in the map, otherwise the answer of `Lookup`. */
    function LookupAsWritten(taskId: string): (r: Result<Option<TaskRecord>>)
      reads repository, repository.tasks.Values
      ensures r.Err? <==> taskId !in repository.tasks
      ensures r.Err? ==> r.error == NullPointer(NULL_SOURCE_OBJECT)
      ensures r.Ok? ==> r.value == Lookup(taskId)
    {
      var t := repository.FindTaskByIdAsWritten(taskId);
      if t.Err? then Err(t.error) else if t.value == null then Ok(None) else Ok(Some(t.value.Record()))
    }

    /** The record stored under an id, deleted or not. */
    ghost function Current(taskId: string): Option<TaskRecord>
      reads repository, repository.tasks.Values
    {
      if taskId in repository.tasks then Some(repository.tasks[taskId].Record()) else None
    }

    /** The object under an id, if any: what delete and update may change. */
    ghost function Target(taskId: string): set<object>
      reads repository
    {
      if taskId in repository.tasks then {repository.tasks[taskId]} else {}
    }

    /** A record the service can find is never completed. */
    lemma VisibleNeverCompleted(taskId: string)
      requires Valid() && Lookup(taskId).Some?
      ensures !Lookup(taskId).value.taskCompleted
    {
    }

    /** `rs` holds one response per visible record and nothing else. */
    ghost predicate ListsVisibleTasks(rs: seq<TaskResponse>)
      reads repository, repository.tasks.Values
    {
      && |rs| == |repository.VisibleIds()|
      && (forall i :: 0 <= i < |rs| ==> ShowsVisibleTask(rs[i]))
      && (forall k :: k in repository.VisibleIds() ==> ResponseFor(k) in rs)
    }

    /** What the client is shown of the record under a visible id. */
    ghost function ResponseFor(k: string): TaskResponse
      requires k in repository.VisibleIds()
      reads repository, repository.tasks.Values
    {
      BuildTaskResponseObject(repository.tasks[k].Record())
    }

    /** `x` is what the client is shown of some visible record. */
    ghost predicate ShowsVisibleTask(x: TaskResponse)
      reads repository, repository.tasks.Values
    {
      exists k :: k in repository.VisibleIds() && x == ResponseFor(k)
    }

    /** `getAllTasks`: one response per visible record, in the store's order. */
    method GetAllTasks() returns (r: seq<TaskResponse>, ghost ids: seq<string>)
      ensures |r| == |ids|
      ensures forall i, j :: 0 <= i < j < |ids| ==> ids[i] != ids[j]
      ensures forall k :: k in ids <==> k in repository.VisibleIds()
      ensures forall i :: 0 <= i < |ids| ==> ids[i] in repository.tasks && r[i] == BuildTaskResponseObject(repository.tasks[ids[i]].Record())
      ensures ListsVisibleTasks(r)
    {
      var tasks;
      tasks, ids := repository.FindAllTasks();
      r := BuildTaskResponses(tasks);
      ListingFromIds(r, ids);
    }

    /** A response per id, with the ids exactly the visible ones, each once, is a listing. */
    lemma ListingFromIds(r: seq<TaskResponse>, ids: seq<string>)
      requires |r| == |ids|
      requires forall i, j :: 0 <= i < j < |ids| ==> ids[i] != ids[j]
      requires forall k :: k in ids <==> k in repository.VisibleIds()
      requires forall i :: 0 <= i < |ids| ==> ids[i] in repository.tasks && r[i] == BuildTaskResponseObject(repository.tasks[ids[i]].Record())
      ensures ListsVisibleTasks(r)
    {
      CountFromIds(ids, repository.VisibleIds());
      CoverFromIds(r, ids);
      SoundFromIds(r, ids);
    }

    /** Every visible record's response is in `r`. */
    lemma CoverFromIds(r: seq<TaskResponse>, ids: seq<string>)
      requires |r| == |ids|
      requires forall k :: k in ids <==> k in repository.VisibleIds()
      requires forall i :: 0 <= i < |ids| ==> ids[i] in repository.tasks && r[i] == BuildTaskResponseObject(repository.tasks[ids[i]].Record())
      ensures forall k :: k in repository.VisibleIds() ==> ResponseFor(k) in r
    {
      forall k | k in repository.VisibleIds()
        ensures ResponseFor(k) in r
      {
        var i :| 0 <= i < |ids| && ids[i] == k;
        assert r[i] == ResponseFor(k);
      }
    }

    /** Every response in `r` is that of a visible record. */
    lemma SoundFromIds(r: seq<TaskResponse>, ids: seq<string>)
      requires |r| == |ids|
      requires forall k :: k in ids ==> k in repository.VisibleIds()
      requires forall i :: 0 <= i < |ids| ==> ids[i] in repository.tasks && r[i] == BuildTaskResponseObject(repository.tasks[ids[i]].Record())
      ensures forall i :: 0 <= i < |r| ==> ShowsVisibleTask(r[i])
    {
      forall i | 0 <= i < |r|
        ensures ShowsVisibleTask(r[i])
      {
        assert ids[i] in ids;
        assert r[i] == ResponseFor(ids[i]);
      }
    }

    /** `getTaskById`. */
    method GetTaskById(taskId: string) returns (r: Result<TaskResponse>)
      ensures r == ToResponse(LookupOutcome(taskId, isValidTaskId(taskId), Lookup(taskId)))
    {
      if isValidTaskId(taskId) {
        var existingTask := repository.FindTaskById(taskId);
        if existingTask == null {
          r := Err(ResourceNotFound(NO_TASK_FOUND_WITH_ID + taskId));
        } else {
          r := Ok(BuildTaskResponseObject(existingTask.Record()));
        }
      } else {
        r := Err(BadRequest(INVALID_TASK_ID + taskId));
      }
    }

    /** `deleteTaskById`: the checks of `getTaskById`, then the soft delete; the
        answer shows the record as it was. On an error nothing changes. */
    method DeleteTaskById(taskId: string) returns (r: Result<TaskResponse>)
      modifies Target(taskId)
      ensures r == ToResponse(LookupOutcome(taskId, isValidTaskId(taskId), old(Lookup(taskId))))
      ensures repository.tasks == old(repository.tasks)
      ensures r.Err? ==> unchanged(Target(taskId))
      ensures r.Ok? ==> repository.tasks[taskId].Record() == old(repository.tasks[taskId].Record()).(taskDeleted := true)
      ensures r.Ok? && old(Valid()) ==> repository.VisibleIds() == old(repository.VisibleIds()) - {taskId}
      ensures old(Valid()) ==> Valid()
    {
      if isValidTaskId(taskId) {
        var existingTaskObject := repository.FindTaskById(taskId);
        if existingTaskObject == null {
          return Err(ResourceNotFound(NO_TASK_FOUND_WITH_ID + taskId));
        }
        ghost var before := existingTaskObject.Record();
        repository.DeleteTaskById(taskId);
        ResponseHidesInternalFields(existingTaskObject.Record(), before);
        r := Ok(BuildTaskResponseObject(existingTaskObject.Record()));
      } else {
        r := Err(BadRequest(INVALID_TASK_ID + taskId));
      }
    }

    /** `updateTaskById`: the answer is `UpdateOutcome`; on success the record is
        patched in place and filed again under the same id, otherwise nothing changes. */
    method UpdateTaskById(taskId: string, updatedTaskData: Option<TaskPatchRequest>) returns (r: Result<TaskResponse>)
      modifies repository, Target(taskId)
      ensures r == ToResponse(UpdateOutcome(taskId, updatedTaskData, isValidTaskId(taskId), old(Lookup(taskId))))
      ensures repository.tasks == old(repository.tasks)
      ensures r.Err? ==> unchanged(Target(taskId))
      ensures r.Ok? ==>
        repository.tasks[taskId].Record() == UpdateOutcome(taskId, updatedTaskData, isValidTaskId(taskId), old(Lookup(taskId))).value
      ensures old(Valid()) ==> Valid()
    {
      if updatedTaskData.None? {
        return Err(BadRequest(EMPTY_REQUEST_BODY_NOT_VALID));
      }
      if !isValidTaskId(taskId) {
        return Err(BadRequest(INVALID_TASK_ID + taskId));
      }
      var existingTaskObject := repository.FindTaskById(taskId);
      if existingTaskObject == null {
        return Err(ResourceNotFound(NO_TASK_FOUND_WITH_ID + taskId));
      }
      var patch := updatedTaskData.value;
      if patch.taskTitle.Some? {
        var title := ValidateTaskTitle(patch.taskTitle, false);
        if title.Err? {
          return Err(title.error);
        }
      }
      ghost var found := Lookup(taskId);
      PatchAndRefile(taskId, existingTaskObject, patch);
      assert existingTaskObject.Record() == ApplyPatch(found.value, patch);
      r := Ok(BuildTaskResponseObject(existingTaskObject.Record()));
    }

    /** The end of `updateTaskById`: the record found under the id is patched in
        place and filed again under the same id. */
    method PatchAndRefile(taskId: string, existingTaskObject: TaskModel, patch: TaskPatchRequest)
      requires taskId in repository.tasks && repository.tasks[taskId] == existingTaskObject
      modifies repository, existingTaskObject
      ensures existingTaskObject.Record() == ApplyPatch(old(existingTaskObject.Record()), patch)
      ensures repository.tasks == old(repository.tasks)
      ensures old(Valid()) ==> Valid()
    {
      PatchInPlace(existingTaskObject, patch);
      repository.UpdateTaskById(taskId, existingTaskObject);
      assert repository.tasks == old(repository.tasks);
    }

    /** The retry loop of `createNewTask`: draws ids until `findTaskById` finds
        nothing. `n` is the number of draws, so the id is the first free one. */
    method NextFreeId(generatedIds: seq<string>) returns (taskId: string, n: nat)
      requires HasFreeId(generatedIds, repository.VisibleIds())
      ensures n == FirstFreeIndex(generatedIds, repository.VisibleIds()) + 1
      ensures taskId == generatedIds[n - 1] && taskId !in repository.VisibleIds()
    {
      ghost var stop := FirstFreeIndex(generatedIds, repository.VisibleIds());
      taskId := generatedIds[0];
      n := 1;
      var existingTaskRecord := repository.FindTaskById(taskId);
      while existingTaskRecord != null
        invariant 1 <= n <= stop + 1
        invariant taskId == generatedIds[n - 1]
        invariant existingTaskRecord == repository.FindTaskById(taskId)
        invariant existingTaskRecord == null ==> n == stop + 1
        decreases stop + 1 - n
      {
        taskId := generatedIds[n];
        n := n + 1;
        existingTaskRecord := repository.FindTaskById(taskId);
      }
    }

    /** The end of `createNewTask`: builds the record, gives a null description
        the value "", and files it under its id. */
    method FileNewTask(taskId: string, request: TaskPostRequest, createdOn: string, lastUpdatedOn: string)
      returns (newTaskRecord: TaskModel)
      modifies repository
      ensures fresh(newTaskRecord)
      ensures newTaskRecord.Record() == NewTaskRecord(taskId, request, createdOn, lastUpdatedOn)
      ensures repository.tasks == old(repository.tasks)[taskId := newTaskRecord]
      ensures old(Valid()) ==> Valid()
    {
      newTaskRecord := new TaskModel(taskId, request.taskTitle, request.taskDescription,
        createdOn, lastUpdatedOn, false, false);
      if newTaskRecord.taskDescription.None? {
        newTaskRecord.SetTaskDescription(Some(""));
      }
      repository.AddNewTask(newTaskRecord);
    }

    /** `createNewTask`. `generatedIds` are the successive outputs of the UUID
        generator and `createdOn`, `lastUpdatedOn` the two clock readings. The
        retry loop takes the first output no visible record has, so an id of a
        deleted record can be issued again; its entry is then replaced. On an
        error the store is not touched. `probes` counts the `findTaskById` calls. */
    method CreateNewTask(request: Option<TaskPostRequest>, generatedIds: seq<string>,
                         createdOn: string, lastUpdatedOn: string)
      returns (r: Result<TaskResponse>, ghost probes: nat)
      requires CreateCheck(request).None? ==> HasFreeId(generatedIds, repository.VisibleIds())
      modifies repository
      ensures r == CreateResult(request, generatedIds, old(repository.VisibleIds()), createdOn, lastUpdatedOn)
      ensures CreateCheck(request).Some? ==> repository.tasks == old(repository.tasks)
      ensures CreateCheck(request).None? ==>
        var i := FirstFreeIndex(generatedIds, old(repository.VisibleIds()));
        var taskId := generatedIds[i];
        var record := NewTaskRecord(taskId, request.value, createdOn, lastUpdatedOn);
        && probes == i + 1
        && taskId in repository.tasks
        && repository.tasks == old(repository.tasks)[taskId := repository.tasks[taskId]]
        && fresh(repository.tasks[taskId])
        && repository.tasks[taskId].Record() == record
      ensures old(Valid()) ==> Valid()
    {
      if request.None? {
        return Err(BadRequest(EMPTY_REQUEST_BODY_NOT_VALID)), 0;
      }
      var title := ValidateTaskTitle(request.value.taskTitle, false);
      if title.Err? {
        return Err(title.error), 0;
      }
      // checked with blanks allowed, so this never fails; the value is discarded
      var _ := ValidateTaskDescription(request.value.taskDescription, true);
      var taskId, n := NextFreeId(generatedIds);
      var newTaskRecord := FileNewTask(taskId, request.value, createdOn, lastUpdatedOn);
      r := Ok(BuildTaskResponseObject(newTaskRecord.Record()));
      probes := n;
    }
  }

  /** A sequence without repeats has as many elements as its set. */
  lemma {:induction false} DistinctCardinality(s: seq<string>)
    requires forall i, j :: 0 <= i < j < |s| ==> s[i] != s[j]
    ensures |set x | x in s| == |s|
  {
    if s != [] {
      var init := s[..|s| - 1];
      DistinctCardinality(init);
      assert (set x | x in s) == (set x | x in init) + {s[|s| - 1]};
      assert s[|s| - 1] !in init;
    }
  }

  /** A sequence without repeats whose elements are exactly `vis` has `|vis|` elements. */
  lemma CountFromIds(ids: seq<string>, vis: set<string>)
    requires forall i, j :: 0 <= i < j < |ids| ==> ids[i] != ids[j]
    requires forall k :: k in ids <==> k in vis
    ensures |ids| == |vis|
  {
    DistinctCardinality(ids);
    assert (set k | k in ids) == vis;
  }

  /** The setter calls of `updateTaskById`, once the title has passed its check. */
  method PatchInPlace(t: TaskModel, patch: TaskPatchRequest)
    modifies t
    ensures t.Record() == ApplyPatch(old(t.Record()), patch)
  {
    if patch.taskTitle.Some? {
      t.SetTaskTitle(patch.taskTitle);
    }
    if patch.taskDescription.Some? {
      // checked with blanks allowed, so this never fails; the value is discarded
      var _ := ValidateTaskDescription(patch.taskDescription, true);
      t.SetTaskDescription(patch.taskDescription);
    }
    if patch.isTaskCompleted.Some? {
      t.SetTaskCompleted(patch.isTaskCompleted.value);
    }
    if t.taskCompleted {
      t.SetTaskDeleted(true);
    }
  }

  /** The stream `map` of `getAllTasks`: one response per record, in order. */
  function BuildTaskResponses(ts: seq<TaskModel>): (r: seq<TaskResponse>)
    reads set t | t in ts
    ensures |r| == |ts|
    ensures forall i :: 0 <= i < |ts| ==> r[i] == BuildTaskResponseObject(ts[i].Record())
  {
    if ts == [] then []
    else [BuildTaskResponseObject(ts[0].Record())] + BuildTaskResponses(ts[1..])
  }
}
