/** Request and response payloads, and what decoding a request body can give. */
module Dtos {
  import opened Wrappers

  /** POST body: `task-title`, `task-description` (dtos/request/TaskPostRequestDTO.java). */
  datatype TaskPostRequest = TaskPostRequest(
    taskTitle: Option<string>,
    taskDescription: Option<string>)

  /** PATCH body; every field may be absent (dtos/request/TaskPatchRequestDTO.java). */
  datatype TaskPatchRequest = TaskPatchRequest(
    taskTitle: Option<string>,
    taskDescription: Option<string>,
    isTaskCompleted: Option<bool>)

  /** The task fields a client sees: `task-id`, `task-title`, `task-description`,
      `task-completed`, `task-created-on`. */
  datatype TaskResponse = TaskResponse(
    taskId: string,
    taskTitle: Option<string>,
    taskDescription: Option<string>,
    taskCompleted: bool,
    taskCreatedOn: string)

  /** What Gson's `fromJson` on the request reader gives: an object (`None` for an
      empty body), a syntax error, or a failure to read the body. */
  datatype BodyDecode<+T> =
    | Parsed(dto: Option<T>)
    | Malformed(message: string)
    | Unreadable(message: string)
}
