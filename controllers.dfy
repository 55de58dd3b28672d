/** The router (src/main/java/controllers/TaskServlet.java): what each HTTP
    method does with the normalised path and the decoded body, and which
    exceptions its catch clause turns into an error response. */
module Controllers {
  import opened Wrappers
  import opened Errors
  import opened JavaLang
  import opened Models
  import opened Dtos
  import opened Validation
  import opened ServletUtility
  import opened Repositories
  import opened Services

  /** What a request ends in: a response written by the handler, an exception
      no catch clause takes (left to the servlet container), or a method passed
      on to the default `HttpServlet` dispatch. */
  datatype Outcome = Handled(response: Response) | Escaped(failure: Failure) | Delegated

  /** The exceptions `doGet` and `doDelete` catch. */
  predicate CaughtByGetOrDelete(e: Failure) {
    e.BadRequest? || e.ResourceNotFound?
  }

  /** The exceptions `doPost` and `doPatch` catch: also JSON syntax, JSON I/O and I/O errors. */
  predicate CaughtByPostOrPatch(e: Failure) {
    e.BadRequest? || e.ResourceNotFound? || e.JsonSyntax? || e.ReadFailure?
  }

  /** A thrown exception: an error response when caught, otherwise it escapes. */
  function Settle(e: Failure, caught: bool): Outcome {
    if caught then Handled(BuildApplicationExceptionResponse(e)) else Escaped(e)
  }

  /** A service answer: a success response with the given status, or the
      exception, caught by the POST/PATCH clause when `wide`, else by the GET/DELETE one. */
  function Reply(status: int, r: Result<TaskResponse>, wide: bool): Outcome {
    if r.Ok? then Handled(BuildSuccessResponse(status, Some(TaskData(r.value))))
    else Settle(r.error, if wide then CaughtByPostOrPatch(r.error) else CaughtByGetOrDelete(r.error))
  }

  /** The exception a failed body decode throws. */
  function DecodeFailure<T>(body: BodyDecode<T>): Failure
    requires !body.Parsed?
  {
    if body.Malformed? then JsonSyntax(body.message) else ReadFailure(body.message)
  }

  /** The id handed to the service ("" when there is none, and then the
      service is not called). */
  function IdValue(id: Result<string>): string {
    if id.Ok? then id.value else ""
  }

  /** The id a handler takes from a normalised path. */
  function PathId(path: string): string {
    IdValue(ResourceId(path))
  }

  /** An error response with the given status and message. */
  function ErrorResponse(status: int, message: string): Outcome {
    Handled(Response(status, Some(ErrorBody(message))))
  }

  /** The end of `doGet` and `doDelete`: the id taken from the path, then the
      service's answer, both caught by the GET/DELETE clause. */
  function ByIdOutcome(id: Result<string>, validId: bool, found: Option<TaskRecord>): Outcome {
    match id
    case Err(e) => Settle(e, CaughtByGetOrDelete(e))
    case Ok(taskId) => Reply(200, ToResponse(LookupOutcome(taskId, validId, found)), false)
  }

  /** `doGet` on a normalised path that is not blank: the id, then `getTaskById`. */
  function GetByIdOutcome(path: string, validId: bool, found: Option<TaskRecord>): Outcome {
    ByIdOutcome(ResourceId(path), validId, found)
  }

  /** `doDelete` on a normalised path: a blank path is refused first; otherwise
      as a GET by id, since `deleteTaskById` answers with the record as it was. */
  function DeleteOutcome(path: string, validId: bool, found: Option<TaskRecord>): Outcome {
    if IsBlank(path) then Settle(BadRequest(TASK_ID_NOT_PROVIDED), true)
    else GetByIdOutcome(path, validId, found)
  }

  /** A POST that reaches the creation of a record. */
  predicate PostCreates(path: string, body: BodyDecode<TaskPostRequest>) {
    IsBlank(path) && body.Parsed? && CreateCheck(body.dto).None?
  }

  /** `doPost` on a normalised path: a path that is not blank is refused before
      the body is read; then the decode, then `createNewTask`. */
  function PostOutcome(path: string, body: BodyDecode<TaskPostRequest>, generatedIds: seq<string>,
                       taken: set<string>, createdOn: string, lastUpdatedOn: string): Outcome
    requires PostCreates(path, body) ==> HasFreeId(generatedIds, taken)
  {
    if !IsBlank(path) then Settle(ResourceNotFound(INVALID_REQUEST_URL), true)
    else if !body.Parsed? then Settle(DecodeFailure(body), true)
    else Reply(201, CreateResult(body.dto, generatedIds, taken, createdOn, lastUpdatedOn), true)
  }

  /** `doPatch` on a normalised path: a blank path is refused first; then the
      body is decoded, and only then the id is taken from the path and the
      update made. */
  function PatchOutcome(path: string, body: BodyDecode<TaskPatchRequest>, validId: bool,
                        found: Option<TaskRecord>): Outcome {
    if IsBlank(path) then Settle(BadRequest(TASK_ID_NOT_PROVIDED), true)
    else if !body.Parsed? then Settle(DecodeFailure(body), true)
    else PatchByIdOutcome(ResourceId(path), body.dto, validId, found)
  }

  /** The end of `doPatch`: the id taken from the path, then `updateTaskById`,
      both caught by the POST/PATCH clause. */
  function PatchByIdOutcome(id: Result<string>, dto: Option<TaskPatchRequest>, validId: bool,
                            found: Option<TaskRecord>): Outcome {
    match id
    case Err(e) => Settle(e, CaughtByPostOrPatch(e))
    case Ok(taskId) => Reply(200, ToResponse(UpdateOutcome(taskId, dto, validId, found)), true)
  }

  /** The list a GET on the collection answers with. */
  function ListedTasks(o: Outcome): seq<TaskResponse> {
    if o.Handled? && o.response.body.Some? && o.response.body.value.SuccessBody?
       && o.response.body.value.data.TaskList?
    then o.response.body.value.data.tasks
    else []
  }

  /** A response carrying a success body: what a handler writes when the
      service call went through. */
  predicate IsSuccess(o: Outcome) {
    o.Handled? && o.response.body.Some? && o.response.body.value.SuccessBody?
  }

  /** A path of several segments holds a '/', so it is not blank. */
  lemma SegmentsMeanNotBlank(path: string)
    requires |PathSegments(path)| > 1
    ensures !IsBlank(path)
  {
    SplitCountNeedsSeparator(path, '/');
    var i :| 0 <= i < |path| && path[i] == '/';
    assert !IsSpace(path[i]);
  }

  /** A GET or DELETE on a path of several segments is a 400 "INVALID REQUEST URL". */
  lemma ManySegmentsRejected(path: string, validId: bool, found: Option<TaskRecord>)
    requires |PathSegments(path)| > 1
    ensures GetByIdOutcome(path, validId, found) == ErrorResponse(400, INVALID_REQUEST_URL)
    ensures DeleteOutcome(path, validId, found) == ErrorResponse(400, INVALID_REQUEST_URL)
  {
    SegmentsMeanNotBlank(path);
  }

  /** A GET on a single segment calls `getTaskById` with it: 200 with the
      record when found, 404 for a valid unknown id, 400 for an invalid one. */
  lemma GetSingleSegment(id: string, validId: bool, found: Option<TaskRecord>)
    requires '/' !in id
    ensures PathId(id) == id
    ensures validId && found.Some? ==>
      GetByIdOutcome(id, validId, found)
      == Handled(Response(200, Some(SuccessBody(TaskData(BuildTaskResponseObject(found.value))))))
    ensures validId && found.None? ==>
      GetByIdOutcome(id, validId, found) == ErrorResponse(404, NO_TASK_FOUND_WITH_ID + id)
    ensures !validId ==> GetByIdOutcome(id, validId, found) == ErrorResponse(400, INVALID_TASK_ID + id)
  {
    SingleSegmentIsId(id);
  }

  /** A raw path such as `"/id/"` or `"//id"` reaches `getTaskById` with `id`. */
  lemma SlashedIdReachesLookup(a: string, id: string, b: string)
    requires AllSlashes(a) && AllSlashes(b)
    requires id != [] && !IsSpace(id[0]) && !IsSpace(id[|id| - 1]) && '/' !in id
    ensures RequestUrlPathInfo(Some(a + id + b)) == id && !IsBlank(id) && PathId(id) == id
  {
    PathInfoStripsSlashes(a, id, b);
    SingleSegmentIsId(id);
  }

  /** A POST on any path that is not blank is a 404 "INVALID REQUEST URL", whatever the body. */
  lemma PostRejectsPath(path: string, body: BodyDecode<TaskPostRequest>, generatedIds: seq<string>,
                        taken: set<string>, createdOn: string, lastUpdatedOn: string)
    requires !IsBlank(path)
    ensures PostOutcome(path, body, generatedIds, taken, createdOn, lastUpdatedOn)
      == ErrorResponse(404, INVALID_REQUEST_URL)
  {
  }

  /** A POST on the collection: a null body is a 400; a null or blank title
      escapes every catch clause; a good body is a 201 with an id that no
      visible record has. */
  lemma PostOnCollection(path: string, request: Option<TaskPostRequest>, generatedIds: seq<string>,
                         taken: set<string>, createdOn: string, lastUpdatedOn: string)
    requires IsBlank(path)
    requires CreateCheck(request).None? ==> HasFreeId(generatedIds, taken)
    ensures var o := PostOutcome(path, Parsed(request), generatedIds, taken, createdOn, lastUpdatedOn);
      && (request.None? ==> o == ErrorResponse(400, EMPTY_REQUEST_BODY_NOT_VALID))
      && (request.Some? && IsNullOrBlank(request.value.taskTitle) ==>
            o == Escaped(InvalidRequestAttributeValue(TITLE_REQUIRED)))
      && (CreateCheck(request).None? ==>
            o.Handled? && o.response.status == 201 && o.response.body.Some?
            && o.response.body.value.SuccessBody? && o.response.body.value.data.TaskData?
            && o.response.body.value.data.task.taskId !in taken)
  {
  }

  /** A DELETE or PATCH on a blank path is a 400 "A TASK ID WAS NOT PROVIDED",
      before any body is read. */
  lemma DeleteOrPatchNeedId(path: string, body: BodyDecode<TaskPatchRequest>, validId: bool,
                            found: Option<TaskRecord>)
    requires IsBlank(path)
    ensures DeleteOutcome(path, validId, found) == ErrorResponse(400, TASK_ID_NOT_PROVIDED)
    ensures PatchOutcome(path, body, validId, found) == ErrorResponse(400, TASK_ID_NOT_PROVIDED)
  {
  }

  /** PATCH decodes the body before it looks at the segments: a syntax error is
      a 400 and a read error a 500, even on a path of several segments. */
  lemma PatchDecodesFirst(path: string, body: BodyDecode<TaskPatchRequest>, validId: bool,
                          found: Option<TaskRecord>)
    requires !IsBlank(path) && !body.Parsed?
    ensures body.Malformed? ==> PatchOutcome(path, body, validId, found) == ErrorResponse(400, body.message)
    ensures body.Unreadable? ==> PatchOutcome(path, body, validId, found) == ErrorResponse(500, body.message)
  {
  }

  /** A decoded PATCH on a path of several segments is a 400 "INVALID REQUEST URL". */
  lemma PatchManySegmentsRejected(path: string, dto: Option<TaskPatchRequest>, validId: bool,
                                  found: Option<TaskRecord>)
    requires |PathSegments(path)| > 1
    ensures PatchOutcome(path, Parsed(dto), validId, found) == ErrorResponse(400, INVALID_REQUEST_URL)
  {
    SegmentsMeanNotBlank(path);
  }

  /** A PATCH that blanks the title of a found task escapes every catch clause. */
  lemma PatchBlankTitleEscapes(id: string, p: TaskPatchRequest, found: TaskRecord)
    requires !IsBlank(id) && '/' !in id
    requires p.taskTitle.Some? && IsBlank(p.taskTitle.value)
    ensures PatchOutcome(id, Parsed(Some(p)), true, Some(found)) == Escaped(InvalidRequestAttributeValue(TITLE_REQUIRED))
  {
    SingleSegmentIsId(id);
  }

  /** A path that normalises to "/" is not blank but has no segment: GET,
      DELETE and a decoded PATCH all let ArrayIndexOutOfBoundsException escape. */
  lemma NoSegmentEscapes(dto: Option<TaskPatchRequest>, validId: bool, found: Option<TaskRecord>)
    ensures GetByIdOutcome("/", validId, found) == Escaped(IndexOutOfBounds(EMPTY_ARRAY_INDEX))
    ensures DeleteOutcome("/", validId, found) == Escaped(IndexOutOfBounds(EMPTY_ARRAY_INDEX))
    ensures PatchOutcome("/", Parsed(dto), validId, found) == Escaped(IndexOutOfBounds(EMPTY_ARRAY_INDEX))
  {
    SlashHasNoSegment();
    assert !IsBlank("/");
  }

  /** `"/ / /"` and the like normalise to "/", so they escape as above. */
  lemma SpacedSlashesEscape(sp: string, dto: Option<TaskPatchRequest>, validId: bool, found: Option<TaskRecord>)
    requires sp != [] && IsBlank(sp)
    ensures var path := RequestUrlPathInfo(Some("/" + sp + "/" + sp + "/"));
      && GetByIdOutcome(path, validId, found) == Escaped(IndexOutOfBounds(EMPTY_ARRAY_INDEX))
      && DeleteOutcome(path, validId, found) == Escaped(IndexOutOfBounds(EMPTY_ARRAY_INDEX))
      && PatchOutcome(path, Parsed(dto), validId, found) == Escaped(IndexOutOfBounds(EMPTY_ARRAY_INDEX))
  {
    PathInfoSpacedSlashes(sp);
    NoSegmentEscapes(dto, validId, found);
  }

  /** A DELETE succeeds exactly on a path of one segment naming a valid id of a
      visible record, and then answers with the record as it was. */
  lemma DeleteSucceeds(path: string, validId: bool, found: Option<TaskRecord>)
    ensures IsSuccess(DeleteOutcome(path, validId, found)) <==>
      !IsBlank(path) && ResourceId(path).Ok? && validId && found.Some?
    ensures IsSuccess(DeleteOutcome(path, validId, found)) ==>
      DeleteOutcome(path, validId, found).response
      == Response(200, Some(SuccessBody(TaskData(BuildTaskResponseObject(found.value)))))
  {
  }

  /** A PATCH succeeds exactly when the path is one segment, the body decodes
      and `updateTaskById` accepts it; the answer is the patched record. */
  lemma PatchSucceeds(path: string, body: BodyDecode<TaskPatchRequest>, validId: bool, found: Option<TaskRecord>)
    ensures IsSuccess(PatchOutcome(path, body, validId, found)) <==>
      !IsBlank(path) && body.Parsed? && ResourceId(path).Ok?
      && UpdateOutcome(PathId(path), body.dto, validId, found).Ok?
    ensures IsSuccess(PatchOutcome(path, body, validId, found)) ==>
      found.Some? && body.dto.Some?
      && PatchOutcome(path, body, validId, found).response
         == Response(200, Some(SuccessBody(TaskData(BuildTaskResponseObject(ApplyPatch(found.value, body.dto.value))))))
  {
  }

  /** A POST succeeds exactly when it reaches the creation of a record. */
  lemma PostSucceeds(path: string, body: BodyDecode<TaskPostRequest>, generatedIds: seq<string>,
                     taken: set<string>, createdOn: string, lastUpdatedOn: string)
    requires PostCreates(path, body) ==> HasFreeId(generatedIds, taken)
    ensures IsSuccess(PostOutcome(path, body, generatedIds, taken, createdOn, lastUpdatedOn)) <==> PostCreates(path, body)
  {
  }

  /** `doGet` and `doDelete` after the path checks, with the store's lookup as
      written: `probe` is what that lookup gives. */
  function ByIdOutcomeAsWritten(id: Result<string>, validId: bool, probe: Result<Option<TaskRecord>>): (o: Outcome)
    ensures probe.Ok? ==> o == ByIdOutcome(id, validId, probe.value)
  {
    match id
    case Err(e) => Settle(e, CaughtByGetOrDelete(e))
    case Ok(taskId) => Reply(200, ToResponse(LookupOutcomeAsWritten(taskId, validId, probe)), false)
  }

  /** The end of `doPatch` with the store's lookup as written. */
  function PatchByIdOutcomeAsWritten(id: Result<string>, dto: Option<TaskPatchRequest>, validId: bool,
                                     probe: Result<Option<TaskRecord>>): (o: Outcome)
    ensures probe.Ok? ==> o == PatchByIdOutcome(id, dto, validId, probe.value)
  {
    match id
    case Err(e) => Settle(e, CaughtByPostOrPatch(e))
    case Ok(taskId) => Reply(200, ToResponse(UpdateOutcomeAsWritten(taskId, dto, validId, probe)), true)
  }

  /** `doPost` with the store's lookup as written; `keys` are the ids in the map
      and `visible` those of its visible records. */
  function PostOutcomeAsWritten(path: string, body: BodyDecode<TaskPostRequest>, generatedIds: seq<string>,
                                keys: set<string>, visible: set<string>, createdOn: string, lastUpdatedOn: string)
    : (o: Outcome)
    requires visible <= keys
    requires PostCreates(path, body) ==> HasFreeId(generatedIds, visible)
    ensures !PostCreates(path, body) ==> o == PostOutcome(path, body, generatedIds, visible, createdOn, lastUpdatedOn)
  {
    if !IsBlank(path) then Settle(ResourceNotFound(INVALID_REQUEST_URL), true)
    else if !body.Parsed? then Settle(DecodeFailure(body), true)
    else Reply(201, CreateResultAsWritten(body.dto, generatedIds, keys, visible, createdOn, lastUpdatedOn), true)
  }

  /** As written, a GET, DELETE or decoded PATCH of a valid id under which
      nothing was ever filed lets NullPointerException escape, where the
      intended lookup answers 404. */
  lemma UnknownIdEscapes(service: TaskService, id: string, dto: TaskPatchRequest)
    requires '/' !in id && !IsBlank(id) && service.isValidTaskId(id) && id !in service.repository.tasks
    ensures ByIdOutcomeAsWritten(ResourceId(id), true, service.LookupAsWritten(id)) == Escaped(NullPointer(NULL_SOURCE_OBJECT))
    ensures PatchByIdOutcomeAsWritten(ResourceId(id), Some(dto), true, service.LookupAsWritten(id))
      == Escaped(NullPointer(NULL_SOURCE_OBJECT))
    ensures GetByIdOutcome(id, true, service.Lookup(id)) == ErrorResponse(404, NO_TASK_FOUND_WITH_ID + id)
    ensures DeleteOutcome(id, true, service.Lookup(id)) == ErrorResponse(404, NO_TASK_FOUND_WITH_ID + id)
    ensures PatchOutcome(id, Parsed(Some(dto)), true, service.Lookup(id)) == ErrorResponse(404, NO_TASK_FOUND_WITH_ID + id)
  {
    SingleSegmentIsId(id);
  }

  /** As written, a good POST on the collection succeeds exactly when the first
      id the generator gives that no visible record has belongs to a deleted
      record; a never-used id makes it escape with NullPointerException. */
  lemma PostReusesDeletedIdsOnly(path: string, body: BodyDecode<TaskPostRequest>, generatedIds: seq<string>,
                                keys: set<string>, visible: set<string>, createdOn: string, lastUpdatedOn: string)
    requires visible <= keys && PostCreates(path, body) && HasFreeId(generatedIds, visible)
    ensures var o := PostOutcomeAsWritten(path, body, generatedIds, keys, visible, createdOn, lastUpdatedOn);
      && (IsSuccess(o) <==> generatedIds[FirstFreeIndex(generatedIds, visible)] in keys)
      && (!IsSuccess(o) ==> o == Escaped(NullPointer(NULL_SOURCE_OBJECT)))
      && (IsSuccess(o) ==> o == PostOutcome(path, body, generatedIds, visible, createdOn, lastUpdatedOn))
  {
  }

  /** The first POST on an empty store, or any POST whose first generated id was
      never used, escapes as written and is a 201 as intended. */
  lemma FreshIdPostEscapes(path: string, request: TaskPostRequest, generatedIds: seq<string>, keys: set<string>,
                           visible: set<string>, createdOn: string, lastUpdatedOn: string)
    requires IsBlank(path) && CreateCheck(Some(request)).None?
    requires visible <= keys && generatedIds != [] && generatedIds[0] !in keys
    ensures HasFreeId(generatedIds, visible)
    ensures PostOutcomeAsWritten(path, Parsed(Some(request)), generatedIds, keys, visible, createdOn, lastUpdatedOn)
      == Escaped(NullPointer(NULL_SOURCE_OBJECT))
    ensures PostOutcome(path, Parsed(Some(request)), generatedIds, visible, createdOn, lastUpdatedOn).response.status == 201
  {
    assert generatedIds[0] !in visible;
    assert FirstFreeIndex(generatedIds, visible) == 0;
  }

  /** The id a handler takes from the raw path information. */
  function IdOf(pathInfo: Option<string>): string {
    PathId(RequestUrlPathInfo(pathInfo))
  }

  /** The servlet over one service. */
  class TaskServlet {
    const service: TaskService

    constructor (service: TaskService)
      ensures this.service == service
    {
      this.service := service;
    }

    /** `doGet`: the list of visible tasks on a blank path, one task otherwise. */
    method DoGet(pathInfo: Option<string>) returns (o: Outcome)
      ensures IsBlank(RequestUrlPathInfo(pathInfo)) ==>
        o == Handled(BuildSuccessResponse(200, Some(TaskList(ListedTasks(o)))))
        && service.ListsVisibleTasks(ListedTasks(o))
      ensures !IsBlank(RequestUrlPathInfo(pathInfo)) ==>
        o == GetByIdOutcome(RequestUrlPathInfo(pathInfo), service.isValidTaskId(IdOf(pathInfo)),
                            service.Lookup(IdOf(pathInfo)))
    {
      var path := RequestUrlPathInfo(pathInfo);
      if IsBlank(path) {
        var tasks;
        ghost var ids;
        tasks, ids := service.GetAllTasks();
        o := Handled(BuildSuccessResponse(200, Some(TaskList(tasks))));
      } else {
        var id := ResourceId(path);
        if id.Err? {
          o := Settle(id.error, CaughtByGetOrDelete(id.error));
        } else {
          var r := service.GetTaskById(id.value);
          o := Reply(200, r, false);
        }
      }
    }

    /** `doPost`. `body` is what decoding the request body gives; the other
        parameters feed `createNewTask`. */
    method DoPost(pathInfo: Option<string>, body: BodyDecode<TaskPostRequest>, generatedIds: seq<string>,
                  createdOn: string, lastUpdatedOn: string) returns (o: Outcome)
      requires PostCreates(RequestUrlPathInfo(pathInfo), body) ==> HasFreeId(generatedIds, service.repository.VisibleIds())
      modifies service.repository
      ensures o == PostOutcome(RequestUrlPathInfo(pathInfo), body, generatedIds, old(service.repository.VisibleIds()),
                               createdOn, lastUpdatedOn)
      ensures !PostCreates(RequestUrlPathInfo(pathInfo), body) ==> service.repository.tasks == old(service.repository.tasks)
      ensures PostCreates(RequestUrlPathInfo(pathInfo), body) ==>
        var taskId := generatedIds[FirstFreeIndex(generatedIds, old(service.repository.VisibleIds()))];
        && taskId in service.repository.tasks
        && service.repository.tasks == old(service.repository.tasks)[taskId := service.repository.tasks[taskId]]
        && fresh(service.repository.tasks[taskId])
        && service.repository.tasks[taskId].Record() == NewTaskRecord(taskId, body.dto.value, createdOn, lastUpdatedOn)
      ensures old(service.Valid()) ==> service.Valid()
    {
      if !IsBlank(RequestUrlPathInfo(pathInfo)) {
        return Settle(ResourceNotFound(INVALID_REQUEST_URL), true);
      }
      if !body.Parsed? {
        return Settle(DecodeFailure(body), true);
      }
      var r;
      ghost var probes;
      r, probes := service.CreateNewTask(body.dto, generatedIds, createdOn, lastUpdatedOn);
      o := Reply(201, r, true);
    }

    /** `doDelete`. */
    method DoDelete(pathInfo: Option<string>) returns (o: Outcome)
      modifies service.Target(IdOf(pathInfo))
      ensures o == DeleteOutcome(RequestUrlPathInfo(pathInfo), service.isValidTaskId(IdOf(pathInfo)),
                                 old(service.Lookup(IdOf(pathInfo))))
      ensures service.repository.tasks == old(service.repository.tasks)
      ensures IsSuccess(o) ==>
        && old(service.Lookup(IdOf(pathInfo))).Some?
        && service.Current(IdOf(pathInfo)) == Some(old(service.Lookup(IdOf(pathInfo))).value.(taskDeleted := true))
      ensures !IsSuccess(o) ==> unchanged(service.Target(IdOf(pathInfo)))
      ensures old(service.Valid()) ==> service.Valid()
    {
      var path := RequestUrlPathInfo(pathInfo);
      if IsBlank(path) {
        return Settle(BadRequest(TASK_ID_NOT_PROVIDED), true);
      }
      var id := ResourceId(path);
      o := DeleteResource(id);
    }

    /** The end of `doDelete`: `deleteTaskById` on the id, if there is one. */
    method DeleteResource(id: Result<string>) returns (o: Outcome)
      modifies service.Target(IdValue(id))
      ensures o == ByIdOutcome(id, service.isValidTaskId(IdValue(id)), old(service.Lookup(IdValue(id))))
      ensures service.repository.tasks == old(service.repository.tasks)
      ensures IsSuccess(o) ==>
        && old(service.Lookup(IdValue(id))).Some?
        && service.Current(IdValue(id)) == Some(old(service.Lookup(IdValue(id))).value.(taskDeleted := true))
      ensures !IsSuccess(o) ==> unchanged(service.Target(IdValue(id)))
      ensures old(service.Valid()) ==> service.Valid()
    {
      if id.Err? {
        return Settle(id.error, CaughtByGetOrDelete(id.error));
      }
      var r := service.DeleteTaskById(id.value);
      o := Reply(200, r, false);
    }

    /** `doPatch`. `body` is what decoding the request body gives. */
    method DoPatch(pathInfo: Option<string>, body: BodyDecode<TaskPatchRequest>) returns (o: Outcome)
      modifies service.repository, service.Target(IdOf(pathInfo))
      ensures o == PatchOutcome(RequestUrlPathInfo(pathInfo), body, service.isValidTaskId(IdOf(pathInfo)),
                                old(service.Lookup(IdOf(pathInfo))))
      ensures service.repository.tasks == old(service.repository.tasks)
      ensures IsSuccess(o) ==>
        && old(service.Lookup(IdOf(pathInfo))).Some? && body.Parsed? && body.dto.Some?
        && service.Current(IdOf(pathInfo)) == Some(ApplyPatch(old(service.Lookup(IdOf(pathInfo))).value, body.dto.value))
      ensures !IsSuccess(o) ==> unchanged(service.Target(IdOf(pathInfo)))
      ensures old(service.Valid()) ==> service.Valid()
    {
      var path := RequestUrlPathInfo(pathInfo);
      if IsBlank(path) {
        return Settle(BadRequest(TASK_ID_NOT_PROVIDED), true);
      }
      if !body.Parsed? {
        return Settle(DecodeFailure(body), true);
      }
      var id := ResourceId(path);
      o := PatchResource(id, body.dto);
    }

    /** The end of `doPatch`: `updateTaskById` on the id, if there is one. */
    method PatchResource(id: Result<string>, dto: Option<TaskPatchRequest>) returns (o: Outcome)
      modifies service.repository, service.Target(IdValue(id))
      ensures o == PatchByIdOutcome(id, dto, service.isValidTaskId(IdValue(id)), old(service.Lookup(IdValue(id))))
      ensures service.repository.tasks == old(service.repository.tasks)
      ensures IsSuccess(o) ==>
        && old(service.Lookup(IdValue(id))).Some? && dto.Some?
        && service.Current(IdValue(id)) == Some(ApplyPatch(old(service.Lookup(IdValue(id))).value, dto.value))
      ensures !IsSuccess(o) ==> unchanged(service.Target(IdValue(id)))
      ensures old(service.Valid()) ==> service.Valid()
    {
      if id.Err? {
        return Settle(id.error, CaughtByPostOrPatch(id.error));
      }
      var r := service.UpdateTaskById(id.value, dto);
      o := Reply(200, r, true);
    }

    /** `service`: PATCH goes to `doPatch`; every other method to the default dispatch. */
    method Service(requestMethod: string, pathInfo: Option<string>, body: BodyDecode<TaskPatchRequest>)
      returns (o: Outcome)
      modifies service.repository, service.Target(IdOf(pathInfo))
      ensures requestMethod == "PATCH" ==>
        o == PatchOutcome(RequestUrlPathInfo(pathInfo), body, service.isValidTaskId(IdOf(pathInfo)),
                          old(service.Lookup(IdOf(pathInfo))))
      ensures service.repository.tasks == old(service.repository.tasks)
      ensures requestMethod == "PATCH" && IsSuccess(o) ==>
        && old(service.Lookup(IdOf(pathInfo))).Some? && body.Parsed? && body.dto.Some?
        && service.Current(IdOf(pathInfo)) == Some(ApplyPatch(old(service.Lookup(IdOf(pathInfo))).value, body.dto.value))
      ensures requestMethod == "PATCH" && !IsSuccess(o) ==> unchanged(service.Target(IdOf(pathInfo)))
      ensures requestMethod != "PATCH" ==>
        o == Delegated && unchanged(service.Target(IdOf(pathInfo)))
      ensures old(service.Valid()) ==> service.Valid()
    {
      if requestMethod == "PATCH" {
        o := DoPatch(pathInfo, body);
      } else {
        o := Delegated;
      }
    }
  }
}
